/** The program of a class: its own code, then the code of every function below it, one after
    the other. What holds of one function's code holds of it inside the optimized program. */
module WholeProgram {
  import opened Options
  import opened Bytecode
  import opened Machine
  import opened Registers
  import opened Labels
  import opened Source
  import opened Symbols
  import opened Codegen
  import opened Optimizer
  import opened Assembler
  import opened CodeShape
  import opened FrameSize
  import opened RuleSafety
  import opened FunctionProof
  import opened Pipeline

  // ----- the order of the functions -----

  /** The functions' own code, one after the other. */
  function Line(fs: seq<Function>, n: nat): Unit
    decreases |fs|
  {
    if fs == [] then Unit([], n)
    else
      var own := FunctionCode(fs[0], n);
      var rest := Line(fs[1..], own.labels);
      Unit(own.code + rest.code, rest.labels)
  }

  lemma {:induction false} LineConcat(a: seq<Function>, b: seq<Function>, n: nat)
    ensures Line(a + b, n) == Unit(Line(a, n).code + Line(b, Line(a, n).labels).code,
                                   Line(b, Line(a, n).labels).labels)
    decreases |a|
  {
    hide FunctionCode;
    if a == [] {
      assert a + b == b;
    } else {
      assert (a + b)[1..] == a[1..] + b;
      LineConcat(a[1..], b, FunctionCode(a[0], n).labels);
    }
  }

  lemma LineOne(f: Function, n: nat)
    ensures Line([f], n) == Unit(FunctionCode(f, n).code, FunctionCode(f, n).labels)
  {
    hide FunctionCode;
    assert [f][1..] == [];
    assert Line([f][1..], FunctionCode(f, n).labels) == Unit([], FunctionCode(f, n).labels);
  }

  /** The compiler's recursion over functions set aside for later emits every function's own
      code once, in this order. */
  lemma {:induction false} FunctionsInLine(fs: seq<Function>, n: nat)
    ensures CompileFunctions(fs, n) == Line(Flat(fs), n)
    decreases TotalSize(fs)
  {
    hide FunctionCode, Line;
    if fs == [] {
      LineNothing(n);
    } else {
      var f, below := fs[0], Flat(Later(fs[0].body));
      LaterSize(f.body);
      FunctionsInLine(Later(f.body), FunctionCode(f, n).labels);
      FunctionsInLine(fs[1..], CompileFunction(f, n).labels);
      LineOne(f, n);
      LineConcat([f], below, n);
      LineConcat([f] + below, Flat(fs[1..]), n);
    }
  }

  lemma LineNothing(n: nat)
    ensures Line([], n) == Unit([], n)
  {
  }

  /** Function k of a line, what precedes it, and what follows it. */
  lemma LineSplit(fs: seq<Function>, k: nat, n: nat)
    requires k < |fs|
    ensures var m := Line(fs[..k], n).labels;
            Line(fs, n).code
            == Line(fs[..k], n).code + FunctionCode(fs[k], m).code
                + Line(fs[k + 1..], FunctionCode(fs[k], m).labels).code
  {
    hide FunctionCode, Line;
    assert fs == fs[..k] + [fs[k]] + fs[k + 1..];
    LineConcat(fs[..k], [fs[k]], n);
    LineOne(fs[k], Line(fs[..k], n).labels);
    LineConcat(fs[..k] + [fs[k]], fs[k + 1..], n);
  }

  // ----- labels of the whole program -----

  predicate Plainly(s: string) { s == [] || s[0] != '.' }

  function NamePair(name: string): set<string> { {name, "end" + name} }

  function NamesOf(fs: seq<Function>): set<string>
    decreases |fs|
  {
    if fs == [] then {} else NamePair(fs[0].name) + NamesOf(fs[1..])
  }

  /** No two functions share a name, none is called like another's end label or like a
      generated label. */
  predicate Distinct(fs: seq<Function>)
    decreases |fs|
  {
    fs == [] || (Plainly(fs[0].name) && NamePair(fs[0].name) !! NamesOf(fs[1..]) && Distinct(fs[1..]))
  }

  predicate DistinctClass(c: Class) {
    var fs := Flat(Later(c.body));
    Plainly(c.name) && NamePair(c.name) !! NamesOf(fs) && Distinct(fs)
  }

  predicate AllPlainly(names: set<string>) { forall s :: s in names ==> Plainly(s) }

  lemma {:induction false} DistinctPlainly(fs: seq<Function>)
    requires Distinct(fs)
    ensures AllPlainly(NamesOf(fs))
    decreases |fs|
  {
    if fs != [] {
      DistinctPlainly(fs[1..]);
    }
  }

  ghost predicate KnownLabel(w: Word, names: set<string>, counters: set<nat>) {
    Generated(w, counters) || (w.Name? && w.s in names)
  }

  /** Labels are defined once, and are of the given names or made from the given counters. */
  ghost predicate LabelsAmong(code: seq<Instr>, names: set<string>, counters: set<nat>) {
    && UniqueLabels(code)
    && forall k :: 0 <= k < |code| && code[k].op == LABEL ==> KnownLabel(code[k].r0, names, counters)
  }

  lemma KnownApart(w: Word, p: set<string>, i: set<nat>, q: set<string>, j: set<nat>)
    requires p !! q && i !! j && AllPlainly(p) && AllPlainly(q)
    ensures !(KnownLabel(w, p, i) && KnownLabel(w, q, j))
  {
    hide Generated;
    GeneratedApart(w, i, j);
    if Generated(w, i) {
      GeneratedDotted(w, i);
    }
    if Generated(w, j) {
      GeneratedDotted(w, j);
    }
  }

  lemma KnownMore(w: Word, p: set<string>, i: set<nat>, q: set<string>, j: set<nat>)
    requires KnownLabel(w, p, i) && p <= q && i <= j
    ensures KnownLabel(w, q, j)
  {
    hide Generated;
    if Generated(w, i) {
      GeneratedMore(w, i, j);
    }
  }

  lemma AmongConcat(a: seq<Instr>, p: set<string>, i: set<nat>, b: seq<Instr>, q: set<string>, j: set<nat>)
    requires LabelsAmong(a, p, i) && LabelsAmong(b, q, j)
    requires p !! q && i !! j && AllPlainly(p) && AllPlainly(q)
    ensures LabelsAmong(a + b, p + q, i + j)
  {
    hide KnownLabel;
    var s := a + b;
    forall k | 0 <= k < |s| && s[k].op == LABEL
      ensures KnownLabel(s[k].r0, p + q, i + j)
    {
      if k < |a| {
        KnownMore(s[k].r0, p, i, p + q, i + j);
      } else {
        KnownMore(s[k].r0, q, j, p + q, i + j);
      }
    }
    forall x, y | 0 <= x < y < |s| && s[x].op == LABEL && s[y].op == LABEL
      ensures s[x].r0 != s[y].r0
    {
      if x < |a| && y >= |a| {
        KnownApart(s[x].r0, p, i, q, j);
      } else if x >= |a| {
        assert b[x - |a|].r0 != b[y - |a|].r0;
      }
    }
  }

  /** A body between its name and its end label. */
  lemma WrappedAmong(name: string, header: seq<Instr>, body: seq<Instr>, counters: set<nat>)
    requires Plainly(name) && NoLabels(header) && Labelled(body, counters)
    ensures LabelsAmong([Label(name)] + header + body + [RETURN_NULL, Label("end" + name)], NamePair(name), counters)
  {
    hide Generated;
    var c := [Label(name)] + header + body + [RETURN_NULL, Label("end" + name)];
    var at := 1 + |header|;
    assert forall k :: at <= k < at + |body| ==> c[k] == body[k - at];
    assert forall k :: 1 <= k < at ==> c[k] == header[k - 1];
    assert "end" + name != name by {
      assert |"end" + name| != |name|;
    }
    forall k | 0 <= k < |body| && body[k].op == LABEL
      ensures body[k].r0 != Name(name) && body[k].r0 != Name("end" + name)
    {
      GeneratedDotted(body[k].r0, counters);
    }
    forall x, y | 0 <= x < y < |c| && c[x].op == LABEL && c[y].op == LABEL
      ensures c[x].r0 != c[y].r0
    {
      if at <= x && y < at + |body| {
        assert body[x - at].r0 != body[y - at].r0;
      }
    }
  }

  lemma FunctionAmong(f: Function, n: nat)
    requires Plainly(f.name)
    ensures LabelsAmong(FunctionCode(f, n).code, NamePair(f.name), Range(n, FunctionCode(f, n).labels))
    ensures n <= FunctionCode(f, n).labels
  {
    hide CompileBody, Labelled, LabelsAmong, Range, FunctionTables;
    var ts := FunctionTables(f);
    var b := CompileBody(f.body, ts.symbols, [], [], n);
    BodyLabels(f.body, ts.symbols, [], [], n);
    var header := [FrameHeader(|b.pool| + |ts.symbols|, ts, f.name), LoadFunction(f, ts.symbols)];
    WrappedAmong(f.name, header, b.code, Range(n, b.labels));
    assert FunctionCode(f, n).code == [Label(f.name)] + header + b.code + [RETURN_NULL, Label("end" + f.name)];
  }

  lemma {:induction false} LineAmong(fs: seq<Function>, n: nat)
    requires Distinct(fs)
    ensures n <= Line(fs, n).labels && LabelsAmong(Line(fs, n).code, NamesOf(fs), Range(n, Line(fs, n).labels))
    decreases |fs|
  {
    hide FunctionCode, LabelsAmong, Range;
    if fs == [] {
      NoLabelsAmong(NamesOf(fs), Range(n, n));
    } else {
      var m := FunctionCode(fs[0], n).labels;
      var last := Line(fs[1..], m).labels;
      FunctionAmong(fs[0], n);
      LineAmong(fs[1..], m);
      DistinctPlainly(fs[1..]);
      RangeSplit(n, m, last);
      AmongConcat(FunctionCode(fs[0], n).code, NamePair(fs[0].name), Range(n, m), Line(fs[1..], m).code,
                  NamesOf(fs[1..]), Range(m, last));
    }
  }

  lemma NoLabelsAmong(names: set<string>, counters: set<nat>)
    ensures LabelsAmong([], names, counters)
  {
  }

  // ----- the class -----

  lemma ClassNumbering(c: Class)
    ensures Usable(ClassTables(c).symbols) && ClassTables(c).privates <= ClassTables(c).symbols.Keys
  {
    AddNameKeeps(map[], "this");
    AddNamesKeeps(AddName(map[], "this"), c.params);
    AddBodyKeeps(Tables(AddNames(AddName(map[], "this"), c.params), {}), c.body);
    assert "this" in ClassTables(c).symbols;
  }

  lemma {:induction false} PopsFit(params: seq<string>, t: Table, size: nat)
    requires Numbering(t) && |t| <= size
    ensures Fits(PopArguments(params, t), size) && NoLabels(PopArguments(params, t))
    decreases |params|
  {
    if params != [] {
      PopsFit(params[1..], t, size);
      LookupFits(t, params[0]);
    }
  }

  /** The class's own code fits its frame, is shaped for the later stages, and has labels of
      its own. */
  lemma ClassFits(c: Class, n: nat)
    ensures var o := ClassCode(c, n).code;
            |o| > 1 && o[1].op == FFRAME && o[1].r0.Idx? && Fits(o, o[1].r0.n) && Shaped(o) && Readable(o)
    ensures Plainly(c.name) ==> LabelsAmong(ClassCode(c, n).code, NamePair(c.name), Range(n, ClassCode(c, n).labels))
    ensures n <= ClassCode(c, n).labels
  {
    hide Fits, CompileBody, ClassTables, LabelsAmong, Labelled, Range, PopArguments, Numbering, NoLabels, Shaped;
    var ts := ClassTables(c);
    var b := CompileBody(c.body, ts.symbols, [], [], n);
    var size := |b.pool| + |ts.symbols|;
    var pops := PopArguments(c.params, ts.symbols);
    ClassNumbering(c);
    BodyFits(c.body, ts.symbols, [], [], n);
    BodyLabels(c.body, ts.symbols, [], [], n);
    PopsFit(c.params, ts.symbols, size);
    var frame, create := FrameHeader(size, ts, c.name), Instr(CREATE_THIS, NULL, NULL, NULL);
    var tail := [RETURN_NULL, Label("end" + c.name)];
    HeadFits([Label(c.name), frame, create], tail, size);
    FitsConcat([Label(c.name), frame, create], pops, size);
    FitsConcat([Label(c.name), frame, create] + pops, b.code, size);
    FitsConcat([Label(c.name), frame, create] + pops + b.code, tail, size);
    FitsShaped([Label(c.name), frame, create] + pops + b.code + tail, size);
    if Plainly(c.name) {
      TwoMore(frame, create, pops);
      WrappedAmong(c.name, [frame, create] + pops, b.code, Range(n, b.labels));
      assert ClassCode(c, n).code == [Label(c.name)] + ([frame, create] + pops) + b.code + tail;
    }
  }

  lemma TwoMore(i: Instr, j: Instr, s: seq<Instr>)
    requires i.op != LABEL && j.op != LABEL && NoLabels(s)
    ensures NoLabels([i, j] + s)
  {
  }

  /** The functions of a class in the order of their code. */
  function FunctionsOf(c: Class): seq<Function> { Flat(Later(c.body)) }

  /** The label counter when function k of the class is compiled. */
  function CounterAt(c: Class, k: nat): nat
    requires k < |FunctionsOf(c)|
  {
    Line(FunctionsOf(c)[..k], ClassCode(c, 0).labels).labels
  }

  /** The program before function k, and after it. */
  function CodeBefore(c: Class, k: nat): seq<Instr>
    requires k < |FunctionsOf(c)|
  {
    ClassCode(c, 0).code + Line(FunctionsOf(c)[..k], ClassCode(c, 0).labels).code
  }

  function CodeAfter(c: Class, k: nat): seq<Instr>
    requires k < |FunctionsOf(c)|
  {
    Line(FunctionsOf(c)[k + 1..], FunctionCode(FunctionsOf(c)[k], CounterAt(c, k)).labels).code
  }

  lemma ClassSplit(c: Class, k: nat)
    requires k < |FunctionsOf(c)|
    ensures CompileClass(c).code == CodeBefore(c, k) + FunctionCode(FunctionsOf(c)[k], CounterAt(c, k)).code
            + CodeAfter(c, k)
  {
    hide FunctionCode, ClassCode, Line, Flat;
    FunctionsInLine(Later(c.body), ClassCode(c, 0).labels);
    LineSplit(FunctionsOf(c), k, ClassCode(c, 0).labels);
  }

  /** Every label of the program is defined once. */
  lemma ClassLabels(c: Class)
    requires DistinctClass(c)
    ensures UniqueLabels(CompileClass(c).code)
  {
    hide FunctionCode, ClassCode, Line, Range, KnownLabel, UniqueLabels;
    var n, fs := ClassCode(c, 0).labels, FunctionsOf(c);
    ClassFits(c, 0);
    FunctionsInLine(Later(c.body), n);
    LineAmong(fs, n);
    DistinctPlainly(fs);
    RangeSplit(0, n, Line(fs, n).labels);
    AmongConcat(ClassCode(c, 0).code, NamePair(c.name), Range(0, n), Line(fs, n).code, NamesOf(fs),
                Range(n, Line(fs, n).labels));
  }

  ghost predicate AllWorded(s: seq<Instr>) { forall i :: i in s ==> Worded(i) }

  lemma FitsWorded(c: seq<Instr>, size: nat)
    requires Fits(c, size)
    ensures AllWorded(c)
  {
    hide Worded;
  }

  lemma {:induction false} LineReadable(fs: seq<Function>, n: nat)
    ensures var c := Line(fs, n).code; Readable(c) && Shaped(c) && AllWorded(c)
    decreases |fs|
  {
    hide FunctionCode, ShapedInstr, Worded;
    if fs != [] {
      var own := FunctionCode(fs[0], n);
      FunctionFits(fs[0], n);
      FitsWorded(own.code, own.code[1].r0.n);
      LineReadable(fs[1..], own.labels);
    }
  }

  /** The whole program, and every part of it, ends in a label and has the shapes the later
      stages rely on. */
  lemma ProgramReadable(c: Class)
    ensures var p := CompileClass(c).code; Readable(p) && Shaped(p) && AllWorded(p)
  {
    hide FunctionCode, ClassCode, Line, ShapedInstr, Worded, Flat;
    var n, fs := ClassCode(c, 0).labels, FunctionsOf(c);
    ClassFits(c, 0);
    FitsWorded(ClassCode(c, 0).code, ClassCode(c, 0).code[1].r0.n);
    LineReadable(fs, n);
    FunctionsInLine(Later(c.body), n);
  }

  lemma PartsReadable(c: Class, k: nat)
    requires k < |FunctionsOf(c)|
    ensures Readable(CodeBefore(c, k)) && Shaped(CodeBefore(c, k)) && Readable(CodeAfter(c, k))
            && Shaped(CodeAfter(c, k))
  {
    hide FunctionCode, ClassCode, Line, ShapedInstr, Flat;
    var n, m, fs := ClassCode(c, 0).labels, CounterAt(c, k), FunctionsOf(c);
    ClassFits(c, 0);
    LineReadable(fs[..k], n);
    LineReadable(fs[k + 1..], FunctionCode(fs[k], m).labels);
  }

  /** In the optimized program of a class, entering a function halts exactly as the source. Where
      functions are defined inside try statements, the compiler emits other code than here. */
  lemma ClassHaltsAsSource(env: Env, v: real, c: Class, k: nat, st: Store, d: Data, o: Outcome,
                           trace: seq<Observation>)
    requires DistinctClass(c) && AllVisible(c.body) && k < |FunctionsOf(c)|
    requires var f := FunctionsOf(c)[k];
             Compilable(f) && LoadsFunctions(env, v) && Entered(f, st, d) && Optimizable(f, CounterAt(c, k))
    ensures var whole := CompileClass(c).code; Readable(whole) && Shaped(whole)
    ensures var f := FunctionsOf(c)[k]; f.name in st && AllInFragment(f.body, st[f.name := v].Keys, false)
    ensures var f := FunctionsOf(c)[k];
            var whole, nv := Optimized(CompileClass(c).code), |FunctionTables(f).symbols|;
            Halts(env, nv, whole, Resume(whole, Name(f.name), d), o, trace)
            <==> SourceHalts(f.body, st[f.name := v], o) && trace == BodyData(f, v, d).trace
  {
    hide FunctionCode, FunctionTables, Optimized, Halts, UniqueLabels, Shaped, Readable, Resume, BodyData,
         CompileClass,
         CodeBefore, CodeAfter, FunctionsOf, CounterAt, Optimizable, DistinctClass, Compilable, Entered, SourceHalts,
             AllInFragment, LoadsFunctions;
    ClassSplit(c, k);
    ClassLabels(c);
    PartsReadable(c, k);
    ProgramHaltsAsSource(env, v, FunctionsOf(c)[k], CounterAt(c, k), CodeBefore(c, k), CodeAfter(c, k), st, d, o,
                         trace);
  }
}
